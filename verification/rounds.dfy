/**
 * The round function `sha_round`, the feed-forward `accumulate_state`, and the two round
 * loops that need no vector arithmetic: `rounds_64_79` and `process_second_block`
 * (sha2/src/sha512/x86.rs).
 */
module Rounds {
  import opened Words
  import opened Fips

  /** `big_sigma0`: three right rotations of `a`, by 28, 34 and 39. */
  function ShaBigSigma0(a: Word): Word {
    a.RotateRight(28) ^ a.RotateRight(34) ^ a.RotateRight(39)
  }

  /** `big_sigma1`: three right rotations of `a`, by 14, 18 and 41. */
  function ShaBigSigma1(a: Word): Word {
    a.RotateRight(14) ^ a.RotateRight(18) ^ a.RotateRight(41)
  }

  /** The rotations of `big_sigma0` and `big_sigma1` are those of Σ0 and Σ1 in the standard. */
  lemma ShaBigSigmasAreFips(a: Word)
    ensures ShaBigSigma0(a) == BigSigma0(a) && ShaBigSigma1(a) == BigSigma1(a)
  {
  }

  /** `bool3ary_202`: the choose function written with a single AND. */
  function Bool3ary202(a: Word, b: Word, c: Word): Word {
    c ^ (a & (b ^ c))
  }

  lemma AndDistributesOverXor(a: Word, b: Word, c: Word)
    ensures a & (b ^ c) == (a & b) ^ (a & c)
  {
  }

  lemma XorAndSelf(a: Word, c: Word)
    ensures c ^ (a & c) == !a & c
  {
  }

  lemma XorLeft(c: Word, p: Word, q: Word)
    requires p == q
    ensures c ^ p == c ^ q
  {
  }

  lemma Bool3ary202Distributed(a: Word, b: Word, c: Word)
    ensures Bool3ary202(a, b, c) == c ^ ((a & b) ^ (a & c))
  {
    AndDistributesOverXor(a, b, c);
    XorLeft(c, a & (b ^ c), (a & b) ^ (a & c));
  }

  lemma XorReordered(a: Word, b: Word, c: Word)
    ensures c ^ ((a & b) ^ (a & c)) == (a & b) ^ (c ^ (a & c))
  {
  }

  lemma ChooseDistributed(a: Word, b: Word, c: Word)
    ensures (a & b) ^ (c ^ (a & c)) == Ch(a, b, c)
  {
    XorAndSelf(a, c);
    XorLeft(a & b, c ^ (a & c), !a & c);
  }

  /** The single-AND form selects, bit by bit, `b` where `a` is set and `c` where it is clear. */
  lemma Bool3ary202IsChoose(a: Word, b: Word, c: Word)
    ensures Bool3ary202(a, b, c) == Ch(a, b, c)
  {
    Bool3ary202Distributed(a, b, c);
    XorReordered(a, b, c);
    ChooseDistributed(a, b, c);
  }

  /** `bool3ary_232`: the majority function. */
  function Bool3ary232(a: Word, b: Word, c: Word): Word {
    (a & b) ^ (a & c) ^ (b & c)
  }

  /** `bool3ary_232` is Maj of the standard. */
  lemma Bool3ary232IsMajority(a: Word, b: Word, c: Word)
    ensures Bool3ary232(a, b, c) == Maj(a, b, c)
  {
  }

  /** `rotate_state!`: every word moves one place up and the last word wraps round to slot 0. */
  function RotateState(s: State): (r: State)
    ensures r[0] == s[7]
    ensures forall i :: 1 <= i < 8 ==> r[i] == s[i - 1]
  {
    [s[7]] + s[..7]
  }

  /** `sha_round`: one round on the working state `s`, consuming the keyed schedule word `x`.
      Words a, b, c and e, f, g move down one place unchanged. */
  function ShaRound(s: State, x: Word): (r: State)
    ensures r[1..4] == s[..3] && r[5..] == s[4..7]
  {
    var t := x + s[7] + ShaBigSigma1(s[4]) + Bool3ary202(s[4], s[5], s[6]);
    var s' := s[7 := t + ShaBigSigma0(s[0]) + Bool3ary232(s[0], s[1], s[2])][3 := s[3] + t];
    RotateState(s')
  }

  /** `sha_round` with the values of Σ0, Σ1, the choose and the majority functions supplied. */
  function RoundWith(s: State, x: Word, sigma0: Word, sigma1: Word, ch: Word, maj: Word): State {
    var t := x + s[7] + sigma1 + ch;
    [t + sigma0 + maj, s[0], s[1], s[2], s[3] + t, s[4], s[5], s[6]]
  }

  lemma ShaRoundIsRoundWith(s: State, x: Word)
    ensures ShaRound(s, x) == RoundWith(s, x, ShaBigSigma0(s[0]), ShaBigSigma1(s[4]),
                                        Bool3ary202(s[4], s[5], s[6]), Bool3ary232(s[0], s[1], s[2]))
  {
  }

  lemma RoundWithIsFipsRound(s: State, kt: Word, wt: Word)
    ensures RoundWith(s, wt + kt, BigSigma0(s[0]), BigSigma1(s[4]), Ch(s[4], s[5], s[6]), Maj(s[0], s[1], s[2]))
         == FipsRound(s, kt, wt)
  {
  }

  /** A round on the pre-added word `w + k` is the round of the standard on `k` and `w`. */
  lemma ShaRoundIsFipsRound(s: State, kt: Word, wt: Word)
    ensures ShaRound(s, WrappingAdd(wt, kt)) == FipsRound(s, kt, wt)
  {
    hide ShaBigSigma0, ShaBigSigma1, BigSigma0, BigSigma1, Bool3ary202, Bool3ary232, Ch, Maj;
    hide ShaRound, RoundWith, FipsRound;
    Bool3ary202IsChoose(s[4], s[5], s[6]);
    Bool3ary232IsMajority(s[0], s[1], s[2]);
    ShaBigSigmasAreFips(s[0]);
    ShaBigSigmasAreFips(s[4]);
    assert WrappingAdd(wt, kt) == wt + kt;
    ShaRoundIsRoundWith(s, wt + kt);
    RoundWithIsFipsRound(s, kt, wt);
  }

  /** The working state after one round per word of `xs`, in order. */
  function RunRounds(s: State, xs: seq<Word>): State
    decreases |xs|
  {
    if |xs| == 0 then s else ShaRound(RunRounds(s, xs[..|xs| - 1]), xs[|xs| - 1])
  }

  /** Running the rounds of `a + b` is running those of `a` and then those of `b`. */
  lemma {:induction false} RunRoundsAppend(s: State, a: seq<Word>, b: seq<Word>)
    ensures RunRounds(s, a + b) == RunRounds(RunRounds(s, a), b)
    decreases |b|
  {
    hide ShaRound;
    if |b| == 0 {
      assert a + b == a;
    } else {
      var b' := b[..|b| - 1];
      RunRoundsAppend(s, a, b');
      assert (a + b)[..|a + b| - 1] == a + b';
      assert (a + b)[|a + b| - 1] == b[|b| - 1];
    }
  }

  /** No words, no rounds. */
  lemma RunRoundsNone(s: State, xs: seq<Word>)
    ensures RunRounds(s, xs[..0]) == s
  {
  }

  /** Running the rounds of one more word is one more round. */
  lemma RunRoundsStep(s: State, xs: seq<Word>, i: nat)
    requires i < |xs|
    ensures RunRounds(s, xs[..i + 1]) == ShaRound(RunRounds(s, xs[..i]), xs[i])
  {
    hide ShaRound;
    assert xs[..i + 1][..i] == xs[..i];
  }

  /** The rounds of `xs` split at any point `i`. */
  lemma RunRoundsSplit(s: State, xs: seq<Word>, i: nat)
    requires i <= |xs|
    ensures RunRounds(s, xs) == RunRounds(RunRounds(s, xs[..i]), xs[i..])
  {
    hide ShaRound, RunRounds;
    RunRoundsAppend(s, xs[..i], xs[i..]);
    assert xs[..i] + xs[i..] == xs;
  }

  /** Word `i` of the schedule plus round constant `i`, for every `i`: what the rounds consume. */
  function AddKeys(w: seq<Word>, k: seq<Word>): (r: seq<Word>)
    requires |w| <= |k|
    ensures |r| == |w|
  {
    seq(|w|, i requires 0 <= i < |w| => WrappingAdd(w[i], k[i]))
  }

  /** Keying a prefix of the schedule gives the prefix of the keyed schedule. */
  lemma AddKeysPrefix(w: seq<Word>, k: seq<Word>, n: nat)
    requires n <= |w| <= |k|
    ensures AddKeys(w, k)[..n] == AddKeys(w[..n], k)
  {
    hide WrappingAdd;
    assert forall i :: 0 <= i < n ==> AddKeys(w, k)[..n][i] == AddKeys(w[..n], k)[i];
  }

  /** The first `t` rounds on pre-added words are the first `t` rounds of the standard. */
  lemma {:induction false} RunRoundsIsFipsRounds(s: State, w: seq<Word>, k: seq<Word>, t: nat)
    requires |w| <= |k| && t <= |w|
    ensures RunRounds(s, AddKeys(w, k)[..t]) == FipsRounds(s, w, k, t)
  {
    hide ShaRound, FipsRound, WrappingAdd;
    if t > 0 {
      var xs := AddKeys(w, k)[..t];
      RunRoundsIsFipsRounds(s, w, k, t - 1);
      assert xs[..t - 1] == AddKeys(w, k)[..t - 1];
      ShaRoundIsFipsRound(RunRounds(s, xs[..t - 1]), k[t - 1], w[t - 1]);
    }
  }

  /** All the rounds on pre-added words are all the rounds of the standard. */
  lemma RunRoundsIsAllFipsRounds(s: State, w: seq<Word>, k: seq<Word>)
    requires |w| <= |k|
    ensures RunRounds(s, AddKeys(w, k)) == FipsRounds(s, w, k, |w|)
  {
    hide ShaRound, RunRounds, FipsRounds, WrappingAdd;
    RunRoundsIsFipsRounds(s, w, k, |w|);
    assert AddKeys(w, k)[..|w|] == AddKeys(w, k);
  }

  /** Eighty rounds on a block's keyed schedule, fed forward into the chaining value, are
      the block's compression as FIPS 180-4 specifies it. */
  lemma KeyedRoundsCompress(h: State, block: Block, k: seq<Word>)
    requires |k| == RoundsNum
    ensures FeedForward(h, RunRounds(h, AddKeys(Schedule(BlockWords(block)), k)))
         == FipsCompressBlock(h, block, k)
  {
    hide ShaRound, RunRounds, FipsRounds, WrappingAdd, FeedForward, AddKeys, Schedule, BlockWords;
    RunRoundsIsAllFipsRounds(h, Schedule(BlockWords(block)), k);
  }

  /** `accumulate_state`: adds `src` into `dst` word by word, wrapping modulo 2^64. */
  method AccumulateState(dst: State, src: State) returns (r: State)
    ensures r == FeedForward(dst, src)
  {
    hide WrappingAdd;
    r := dst;
    for i := 0 to HashWordsNum
      invariant forall j :: 0 <= j < i ==> r[j] == WrappingAdd(dst[j], src[j])
      invariant forall j :: i <= j < HashWordsNum ==> r[j] == dst[j]
    {
      r := r[i := WrappingAdd(r[i], src[i])];
    }
  }

  /** Slot `i & 0xf` of the circular schedule is slot `i - 64` in rounds 64 to 79. The solver
      does not relate `&` on bit vectors to integer subtraction, so the proof checks each of
      the sixteen rounds on its own, halving the range at each level. */
  lemma CircularSlot(i: int)
    requires 64 <= i < RoundsNum
    ensures ((i as bv64) & 0xF) as int == i - 64
  {
    if i < 72 {
      if i < 68 {
        if i == 64 {} else if i == 65 {} else if i == 66 {} else {}
      } else {
        if i == 68 {} else if i == 69 {} else if i == 70 {} else {}
      }
    } else {
      if i < 76 {
        if i == 72 {} else if i == 73 {} else if i == 74 {} else {}
      } else {
        if i == 76 {} else if i == 77 {} else if i == 78 {} else {}
      }
    }
  }

  /** `rounds_64_79`: the last sixteen rounds read the sixteen slots of `ms` in order. */
  method Rounds64To79(s0: State, ms: seq<Word>) returns (s: State)
    requires |ms| == BlockWordsNum
    ensures s == RunRounds(s0, ms)
  {
    hide ShaRound;
    s := s0;
    for i := 64 to RoundsNum
      invariant s == RunRounds(s0, ms[..i - 64])
    {
      CircularSlot(i);
      assert ms[..i - 63][..i - 64] == ms[..i - 64];
      s := ShaRound(s, ms[(i as bv64) & 0xF]);
    }
    assert ms[..16] == ms;
  }

  /** `process_second_block`: eighty rounds over the saved schedule `t2`, first word first. */
  method ProcessSecondBlock(s0: State, t2: seq<Word>) returns (s: State)
    requires |t2| == RoundsNum
    ensures s == RunRounds(s0, t2)
  {
    hide ShaRound;
    s := s0;
    for i := 0 to |t2|
      invariant s == RunRounds(s0, t2[..i])
    {
      assert t2[..i + 1][..i] == t2[..i];
      s := ShaRound(s, t2[i]);
    }
    assert t2[..|t2|] == t2;
  }
}
