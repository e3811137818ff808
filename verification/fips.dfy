/**
 * The SHA-512 compression function as FIPS 180-4 states it (sections 4.1.3 and 6.4.2):
 * the reference every vectorised path of the core is proved equal to. It also stands for
 * the scalar `soft::compress` fallback, which is not part of this model.
 */
module Fips {
  import opened Words

  /** Σ0 of section 4.1.3 (equation 4.10). */
  function BigSigma0(a: Word): Word {
    a.RotateRight(28) ^ a.RotateRight(34) ^ a.RotateRight(39)
  }

  /** Σ1 of section 4.1.3 (equation 4.11). */
  function BigSigma1(a: Word): Word {
    a.RotateRight(14) ^ a.RotateRight(18) ^ a.RotateRight(41)
  }

  /** σ0 of section 4.1.3 (equation 4.12). */
  function SmallSigma0(a: Word): Word {
    a.RotateRight(1) ^ a.RotateRight(8) ^ (a >> 7)
  }

  /** σ1 of section 4.1.3 (equation 4.13). */
  function SmallSigma1(a: Word): Word {
    a.RotateRight(19) ^ a.RotateRight(61) ^ (a >> 6)
  }

  /** Ch of section 4.1.3 (equation 4.8): each bit of `x` chooses between `y` and `z`. */
  function Ch(x: Word, y: Word, z: Word): Word {
    (x & y) ^ (!x & z)
  }

  /** Maj of section 4.1.3 (equation 4.9): the bitwise majority of three words. */
  function Maj(x: Word, y: Word, z: Word): Word {
    (x & y) ^ (x & z) ^ (y & z)
  }

  /** Step 1 of section 6.4.2: a schedule word from the words 2, 7, 15 and 16 places before it. */
  function ScheduleWord(w2: Word, w7: Word, w15: Word, w16: Word): Word {
    SmallSigma1(w2) + w7 + SmallSigma0(w15) + w16
  }

  /** Step 1 of section 6.4.2 holds at index `t` of `w`. */
  predicate Recurrence(w: seq<Word>, t: int)
    requires 16 <= t < |w|
  {
    w[t] == ScheduleWord(w[t - 2], w[t - 7], w[t - 15], w[t - 16])
  }

  /** The schedule word that follows the last sixteen words of `w`. */
  function NextWord(w: seq<Word>): Word
    requires |w| >= 16
  {
    ScheduleWord(w[|w| - 2], w[|w| - 7], w[|w| - 15], w[|w| - 16])
  }

  /** `w` followed by `n` more schedule words. */
  function Expand(w: seq<Word>, n: nat): (r: seq<Word>)
    requires |w| >= 16
    ensures |r| == |w| + n
    ensures r[..|w|] == w
    ensures forall t :: |w| <= t < |r| ==> Recurrence(r, t)
    decreases n
  {
    if n == 0 then w
    else
      var w' := w + [NextWord(w)];
      var r := Expand(w', n - 1);
      assert r[..|w|] == w by { assert r[..|w|] == r[..|w'|][..|w|]; }
      assert Recurrence(r, |w|) by { assert r[|w|] == w'[|w|]; }
      r
  }

  /** The 80-word message schedule of a block's sixteen words. */
  function Schedule(m: seq<Word>): (w: seq<Word>)
    requires |m| == 16
    ensures |w| == RoundsNum && w[..16] == m
    ensures forall t :: 16 <= t < RoundsNum ==> Recurrence(w, t)
  {
    Expand(m, 64)
  }

  /** One round of step 3 of section 6.4.2 on the working variables a..h. */
  function FipsRound(v: State, kt: Word, wt: Word): State {
    var a, b, c, d, e, f, g, h := v[0], v[1], v[2], v[3], v[4], v[5], v[6], v[7];
    var t1 := h + BigSigma1(e) + Ch(e, f, g) + kt + wt;
    var t2 := BigSigma0(a) + Maj(a, b, c);
    [t1 + t2, a, b, c, d + t1, e, f, g]
  }

  /** The working variables after the first `t` rounds of step 3. */
  function FipsRounds(v: State, w: seq<Word>, k: seq<Word>, t: nat): State
    requires t <= |w| && t <= |k|
  {
    if t == 0 then v else FipsRound(FipsRounds(v, w, k, t - 1), k[t - 1], w[t - 1])
  }

  /** One block's compression: steps 1 to 4 of section 6.4.2, on the block's sixteen words. */
  function FipsCompress(h: State, m: seq<Word>, k: seq<Word>): State
    requires |m| == 16 && |k| == RoundsNum
  {
    var w := Schedule(m);
    FeedForward(h, FipsRounds(h, w, k, |w|))
  }

  /** Step 4 of section 6.4.2: each word of the chaining value plus the matching working variable. */
  function FeedForward(h: State, v: State): State {
    [ WrappingAdd(h[0], v[0]), WrappingAdd(h[1], v[1]), WrappingAdd(h[2], v[2]), WrappingAdd(h[3], v[3]),
      WrappingAdd(h[4], v[4]), WrappingAdd(h[5], v[5]), WrappingAdd(h[6], v[6]), WrappingAdd(h[7], v[7]) ]
  }

  /** One block's compression, reading the block's words big-endian. */
  function FipsCompressBlock(h: State, block: Block, k: seq<Word>): State
    requires |k| == RoundsNum
  {
    FipsCompress(h, BlockWords(block), k)
  }

  /** The chaining value after compressing `blocks` in order (Merkle-Damgard chaining). */
  function SoftCompress(h: State, blocks: seq<Block>, k: seq<Word>): State
    requires |k| == RoundsNum
  {
    if |blocks| == 0 then h
    else FipsCompressBlock(SoftCompress(h, blocks[..|blocks| - 1], k), blocks[|blocks| - 1], k)
  }

  /** Compressing `a + b` is compressing `a`, then `b` from where `a` left the state. */
  lemma {:induction false} SoftCompressAppend(h: State, a: seq<Block>, b: seq<Block>, k: seq<Word>)
    requires |k| == RoundsNum
    ensures SoftCompress(h, a + b, k) == SoftCompress(SoftCompress(h, a, k), b, k)
    decreases |b|
  {
    hide FipsCompressBlock;
    if |b| == 0 {
      assert a + b == a;
    } else {
      var b', last := b[..|b| - 1], b[|b| - 1];
      SoftCompressAppend(h, a, b', k);
      assert (a + b)[|a + b| - 1] == last;
      assert (a + b)[..|a + b| - 1] == a + b' by {
        assert |(a + b)[..|a + b| - 1]| == |a + b'|;
        forall i | 0 <= i < |a + b'|
          ensures (a + b)[..|a + b| - 1][i] == (a + b')[i]
        {
          if i < |a| {
            assert (a + b')[i] == a[i];
          } else {
            assert (a + b')[i] == b'[i - |a|] == b[i - |a|];
          }
        }
      }
      calc {
        SoftCompress(h, a + b, k);
        FipsCompressBlock(SoftCompress(h, a + b', k), last, k);
        FipsCompressBlock(SoftCompress(SoftCompress(h, a, k), b', k), last, k);
        SoftCompress(SoftCompress(h, a, k), b, k);
      }
    }
  }
}
