/**
 * `fn_sha512_update_x`: one step of the vectorised message schedule
 * (sha2/src/sha512/x86.rs). The eight registers `x` hold the last sixteen schedule words
 * as pairs, oldest first; a step computes the next pair, drops the oldest and returns the
 * new pair plus its two round constants.
 *
 * Every instruction of the step either moves whole 64-bit words between registers
 * (`alignr` by eight bytes) or acts on each 64-bit lane on its own (shifts, XOR, `add`),
 * and the 256-bit instructions act on each 128-bit lane on its own. The step is therefore
 * written once on a single 64-bit lane and applied lane by lane.
 */
module ScheduleUpdate {
  import opened Words
  import opened Fips
  import opened Intrinsics

  /** σ0 as the step computes it: three right shifts and two left shifts of `q[2:1]`, XORed. */
  function SmallSigma0ByShifts(t0: Word): Word {
    var t2 := t0 >> 1;
    var t3 := t0 >> 7;
    var t1 := t0 << 56;      // 64 - 8
    var t0 := t3 ^ t2;
    var t2 := t2 >> 7;       // 8 - 1
    var t0 := t0 ^ t1;
    var t1 := t1 << 7;       // 8 - 1
    var t0 := t0 ^ t2;
    t0 ^ t1
  }

  /** σ1 as the step computes it from `q[15:14]`. */
  function SmallSigma1ByShifts(x7: Word): Word {
    var t3 := x7 >> 6;
    var t2 := x7 << 3;       // 64 - 61
    var t1 := x7 >> 19;
    var t3 := t3 ^ t2;
    var t2 := t2 << 42;      // 61 - 19
    var t3 := t3 ^ t1;
    var t1 := t1 >> 42;      // 61 - 19
    var t3 := t3 ^ t2;
    t3 ^ t1
  }

  /** The shift form is σ0 of FIPS 180-4: each rotation is a right shift XOR a left shift. */
  lemma SmallSigma0ByShiftsIsSigma0(a: Word)
    ensures SmallSigma0ByShifts(a) == SmallSigma0(a)
  {
  }

  /** The shift form is σ1 of FIPS 180-4. */
  lemma SmallSigma1ByShiftsIsSigma1(a: Word)
    ensures SmallSigma1ByShifts(a) == SmallSigma1(a)
  {
  }

  /** The three `ADD64`s of the step on one lane: `q[1:0] + q[10:9] + σ0 + σ1`. */
  function ScheduleSum(x0: Word, t3: Word, s0: Word, s1: Word): Word {
    ((x0 + t3) + s0) + s1
  }

  /** Adding in the step's order gives the schedule word of step 1 of section 6.4.2. */
  lemma ScheduleSumIsScheduleWord(w2: Word, w7: Word, w15: Word, w16: Word)
    ensures ScheduleSum(w16, w7, SmallSigma0(w15), SmallSigma1(w2)) == ScheduleWord(w2, w7, w15, w16)
  {
  }

  /** The new schedule word of one lane: `x0` is 16 words back, `t0` 15, `t3` 7, `x7` 2. */
  function NextLane(x0: Word, t0: Word, t3: Word, x7: Word): (r: Word)
    ensures r == ScheduleWord(x7, t3, t0, x0)
  {
    SmallSigma0ByShiftsIsSigma0(t0);
    SmallSigma1ByShiftsIsSigma1(x7);
    ScheduleSumIsScheduleWord(x7, t3, t0, x0);
    ScheduleSum(x0, t3, SmallSigma0ByShifts(t0), SmallSigma1ByShifts(x7))
  }

  /** The registers after a step and the value the step returns. */
  datatype Step<V> = Step(x: seq<V>, y: V)

  /** `sha512_update_x_avx`: `k` is the pair of round constants `k64_p` points at. */
  function UpdateXAvx(x: seq<M128>, k: M128): (r: Step<M128>)
    requires |x| == 8
    ensures |r.x| == 8 && r.x[..7] == x[1..]
    ensures r.x[7] == M128(ScheduleWord(x[7].lo, x[4].hi, x[0].hi, x[0].lo),
                           ScheduleWord(x[7].hi, x[5].lo, x[1].lo, x[0].hi))
    ensures r.y == AddEpi64(r.x[7], k)
  {
    var t0 := AlignrEpi8By8(x[1], x[0]);
    var t3 := AlignrEpi8By8(x[5], x[4]);
    var x0 := M128(NextLane(x[0].lo, t0.lo, t3.lo, x[7].lo), NextLane(x[0].hi, t0.hi, t3.hi, x[7].hi));
    var x' := x[1..] + [x0];
    Step(x', AddEpi64(x'[7], k))
  }

  /** `sha512_update_x_avx2`: `k` holds the round-constant pair of each lane. Each 128-bit
      lane steps its own schedule, exactly as `sha512_update_x_avx` does. */
  function UpdateXAvx2(x: seq<M256>, k: M256): (r: Step<M256>)
    requires |x| == 8
    ensures |r.x| == 8 && r.x[..7] == x[1..]
    ensures r.x[7].lane0 == M128(ScheduleWord(x[7].lane0.lo, x[4].lane0.hi, x[0].lane0.hi, x[0].lane0.lo),
                                 ScheduleWord(x[7].lane0.hi, x[5].lane0.lo, x[1].lane0.lo, x[0].lane0.hi))
    ensures r.x[7].lane1 == M128(ScheduleWord(x[7].lane1.lo, x[4].lane1.hi, x[0].lane1.hi, x[0].lane1.lo),
                                 ScheduleWord(x[7].lane1.hi, x[5].lane1.lo, x[1].lane1.lo, x[0].lane1.hi))
    ensures r.y == Mm256AddEpi64(r.x[7], k)
  {
    var t0 := Mm256AlignrEpi8By8(x[1], x[0]);
    var t3 := Mm256AlignrEpi8By8(x[5], x[4]);
    var x0 := M256(
      M128(NextLane(x[0].lane0.lo, t0.lane0.lo, t3.lane0.lo, x[7].lane0.lo),
           NextLane(x[0].lane0.hi, t0.lane0.hi, t3.lane0.hi, x[7].lane0.hi)),
      M128(NextLane(x[0].lane1.lo, t0.lane1.lo, t3.lane1.lo, x[7].lane1.lo),
           NextLane(x[0].lane1.hi, t0.lane1.hi, t3.lane1.hi, x[7].lane1.hi)));
    var x' := x[1..] + [x0];
    Step(x', Mm256AddEpi64(x'[7], k))
  }
}
